/** The tracker's record store (script.js, class `DrawBettingTracker`): four
    arrays that the add operations append to, the deletes re-filter, the
    favourite toggle re-sorts, and settlement updates in place. Fresh ids and
    creation times, which the source draws from the clock and a random
    source, are parameters. The `confirm` dialog of every delete is taken as
    granted. */
module Store {
  import opened Records
  import opened Sequences
  import opened Sorting
  import opened TeamOrder
  import opened Staking
  import opened Settlement

  /** Every stored bet has the stake and odds the bet form admits. */
  predicate PlacedStakes(bets: seq<Bet>) {
    forall i :: 0 <= i < |bets| ==> bets[i].amount > 0.0 && bets[i].odds >= 1.0
  }

  /** Placed stakes satisfy the hypotheses of the staking lemmas. */
  lemma PlacedStakesNonNegative(bets: seq<Bet>)
    requires PlacedStakes(bets)
    ensures NonNegativeAmounts(bets) && NonNegativeStakes(bets)
  {
  }

  /** Removing bets keeps the stakes of the survivors. */
  lemma FilterKeepsPlacedStakes(bets: seq<Bet>, keep: Bet -> bool)
    requires PlacedStakes(bets)
    ensures PlacedStakes(Filter(bets, keep))
  {
    FilterContents(bets, keep);
    var r := Filter(bets, keep);
    forall i | 0 <= i < |r|
      ensures r[i].amount > 0.0 && r[i].odds >= 1.0
    {
      assert r[i] in bets;
    }
  }

  // The predicates the deletes filter by: each keeps the records it does not name.

  function NotCompetition(id: Id): Competition -> bool {
    (c: Competition) => c.id != id
  }

  function TeamOutside(competitionId: Id): Team -> bool {
    (t: Team) => t.competitionId != competitionId
  }

  function GameOutside(competitionId: Id): Game -> bool {
    (g: Game) => g.competitionId != competitionId
  }

  function BetOutside(competitionId: Id): Bet -> bool {
    (b: Bet) => b.competitionId != competitionId
  }

  function NotTeam(id: Id): Team -> bool {
    (t: Team) => t.id != id
  }

  /** A game in which the team plays neither home nor away. */
  function GameWithout(teamId: Id): Game -> bool {
    (g: Game) => g.homeTeamId != teamId && g.awayTeamId != teamId
  }

  function BetNotBy(teamId: Id): Bet -> bool {
    (b: Bet) => b.teamId != teamId
  }

  function NotGame(id: Id): Game -> bool {
    (g: Game) => g.id != id
  }

  function BetNotOn(gameId: Id): Bet -> bool {
    (b: Bet) => b.gameId != gameId
  }

  function NotBet(id: Id): Bet -> bool {
    (b: Bet) => b.id != id
  }

  /** The team with `teamId` with its favourite flag flipped; others as they are. */
  function Toggle(t: Team, teamId: Id): Team {
    if t.id == teamId then t.(favorite := !t.favorite) else t
  }

  /** The teams after the flag flip of `toggleFavorite`, before the re-sort. */
  function ToggledFavorites(teams: seq<Team>, teamId: Id): (r: seq<Team>)
    ensures |r| == |teams|
  {
    seq(|teams|, i requires 0 <= i < |teams| => Toggle(teams[i], teamId))
  }

  /** Toggling the same team twice restores every flag. */
  lemma ToggleTwiceRestores(teams: seq<Team>, teamId: Id)
    ensures ToggledFavorites(ToggledFavorites(teams, teamId), teamId) == teams
  {
    var r := ToggledFavorites(ToggledFavorites(teams, teamId), teamId);
    forall i | 0 <= i < |teams|
      ensures r[i] == teams[i]
    {
    }
  }

  /** The toggle flips the flag of exactly the teams with that id and changes nothing else. */
  lemma {:induction false} ToggleFlipsOnlyThatTeam(teams: seq<Team>, teamId: Id)
    ensures Filter(ToggledFavorites(teams, teamId), NotTeam(teamId)) == Filter(teams, NotTeam(teamId))
    ensures forall i :: 0 <= i < |teams| && teams[i].id == teamId ==>
              ToggledFavorites(teams, teamId)[i] == teams[i].(favorite := !teams[i].favorite)
  {
    if teams != [] {
      ToggleFlipsOnlyThatTeam(teams[1..], teamId);
      assert ToggledFavorites(teams, teamId)[1..] == ToggledFavorites(teams[1..], teamId);
    }
  }

  /** Deleting a bet just added under a fresh id restores the bets. */
  lemma DeleteBetUndoesAdd(bets: seq<Bet>, b: Bet)
    requires forall i :: 0 <= i < |bets| ==> bets[i].id != b.id
    ensures Filter(bets + [b], NotBet(b.id)) == bets
  {
    FilterSnoc(bets, b, NotBet(b.id));
    FilterAllKept(bets, NotBet(b.id));
  }

  /** Deleting a team removes every game it plays in but keeps the other
      side's bets on those games, which then refer to a game that is gone. */
  lemma DeleteTeamKeepsOpponentBets(games: seq<Game>, bets: seq<Bet>, teamId: Id, b: Bet)
    requires b in bets && b.teamId != teamId
    requires forall i :: 0 <= i < |games| && games[i].id == b.gameId ==>
               games[i].homeTeamId == teamId || games[i].awayTeamId == teamId
    ensures b in Filter(bets, BetNotBy(teamId))
    ensures forall i :: 0 <= i < |Filter(games, GameWithout(teamId))| ==>
              Filter(games, GameWithout(teamId))[i].id != b.gameId
  {
    FilterContents(bets, BetNotBy(teamId));
    FilterContents(games, GameWithout(teamId));
    var gs := Filter(games, GameWithout(teamId));
    forall i | 0 <= i < |gs|
      ensures gs[i].id != b.gameId
    {
      assert gs[i] in games;
    }
  }

  /** Deleting a competition leaves no team, game or bet of it behind. */
  lemma DeleteCompetitionLeavesNoOrphans(teams: seq<Team>, games: seq<Game>, bets: seq<Bet>, id: Id)
    ensures forall i :: 0 <= i < |Filter(teams, TeamOutside(id))| ==> Filter(teams, TeamOutside(id))[i].competitionId != id
    ensures forall i :: 0 <= i < |Filter(games, GameOutside(id))| ==> Filter(games, GameOutside(id))[i].competitionId != id
    ensures forall i :: 0 <= i < |Filter(bets, BetOutside(id))| ==> Filter(bets, BetOutside(id))[i].competitionId != id
  {
    FilterContents(teams, TeamOutside(id));
    FilterContents(games, GameOutside(id));
    FilterContents(bets, BetOutside(id));
  }

  class Tracker {
    var competitions: seq<Competition>
    var teams: seq<Team>
    var games: seq<Game>
    var bets: seq<Bet>
    /** Set by the views; `None` (or an empty id) means no competition is selected. */
    var selectedCompetition: Option<Id>

    /** Teams are kept favourites first, then by name, and every bet has a
        positive stake and odds of at least one. */
    ghost predicate Valid()
      reads this
    {
      Sorted(teams, TeamLe) && PlacedStakes(bets)
    }

    /** The truthiness test `!this.selectedCompetition`. */
    predicate HasSelection()
      reads this
    {
      selectedCompetition.Some? && selectedCompetition.value != ""
    }

    constructor()
      ensures Valid()
      ensures competitions == [] && teams == [] && games == [] && bets == []
      ensures selectedCompetition == None
    {
      competitions := [];
      teams := [];
      games := [];
      bets := [];
      selectedCompetition := None;
    }

    method AddCompetition(id: Id, name: string, country: string, now: nat)
      modifies this
      requires Valid()
      ensures Valid()
      ensures competitions == old(competitions) + [Competition(id, name, country, now)]
      ensures teams == old(teams) && games == old(games) && bets == old(bets)
      ensures selectedCompetition == old(selectedCompetition)
    {
      competitions := competitions + [Competition(id, name, country, now)];
    }

    /** Adds a non-favourite team to the selected competition and re-sorts:
        the new team lands at some position and every other team keeps its place in order. */
    method AddTeam(id: Id, name: string, now: nat) returns (added: bool)
      modifies this
      requires Valid()
      ensures Valid()
      ensures added == old(HasSelection())
      ensures !added ==> teams == old(teams)
      ensures added ==>
        var team := Team(id, old(selectedCompetition).value, name, false, now);
        && teams == Sort(old(teams) + [team], TeamLe)
        && exists k :: 0 <= k <= |old(teams)| && teams == old(teams)[..k] + [team] + old(teams)[k..]
      ensures competitions == old(competitions) && games == old(games) && bets == old(bets)
      ensures selectedCompetition == old(selectedCompetition)
    {
      if !HasSelection() {
        return false;
      }
      var team := Team(id, selectedCompetition.value, name, false, now);
      TeamLeTotalPreorder();
      SortSorted(teams + [team], TeamLe);
      var k := SortSortedPlusOne(teams, team, TeamLe);
      teams := Sort(teams + [team], TeamLe);
      added := true;
    }

    /** Adds a game to the selected competition; it does not check that the
        two teams differ. */
    method AddGame(id: Id, homeTeamId: Id, awayTeamId: Id, gameDate: int, drawOdds: Option<real>, now: nat)
      returns (added: bool)
      modifies this
      requires Valid()
      ensures Valid()
      ensures added == old(HasSelection())
      ensures !added ==> games == old(games)
      ensures added ==> games == old(games) + [Game(id, old(selectedCompetition).value, homeTeamId, awayTeamId, gameDate, drawOdds, None, now)]
      ensures competitions == old(competitions) && teams == old(teams) && bets == old(bets)
      ensures selectedCompetition == old(selectedCompetition)
    {
      if !HasSelection() {
        return false;
      }
      games := games + [Game(id, selectedCompetition.value, homeTeamId, awayTeamId, gameDate, drawOdds, None, now)];
      added := true;
    }

    /** Places a pending bet; the bet form admits only a positive amount and odds of at least one. */
    method AddBet(id: Id, gameId: Id, teamId: Id, competitionId: Id, amount: real, odds: real, now: nat)
      modifies this
      requires Valid()
      requires amount > 0.0 && odds >= 1.0
      ensures Valid()
      ensures bets == old(bets) + [Bet(id, gameId, teamId, competitionId, amount, odds, None, now)]
      ensures competitions == old(competitions) && teams == old(teams) && games == old(games)
      ensures selectedCompetition == old(selectedCompetition)
    {
      bets := bets + [Bet(id, gameId, teamId, competitionId, amount, odds, None, now)];
    }

    /** Removes the competition and, by its `competitionId`, its teams, games and bets. */
    method DeleteCompetition(competitionId: Id)
      modifies this
      requires Valid()
      ensures Valid()
      ensures competitions == Filter(old(competitions), NotCompetition(competitionId))
      ensures teams == Filter(old(teams), TeamOutside(competitionId))
      ensures games == Filter(old(games), GameOutside(competitionId))
      ensures bets == Filter(old(bets), BetOutside(competitionId))
      ensures selectedCompetition == old(selectedCompetition)
    {
      FilterSorted(teams, TeamOutside(competitionId), TeamLe);
      FilterKeepsPlacedStakes(bets, BetOutside(competitionId));
      competitions := Filter(competitions, NotCompetition(competitionId));
      teams := Filter(teams, TeamOutside(competitionId));
      games := Filter(games, GameOutside(competitionId));
      bets := Filter(bets, BetOutside(competitionId));
    }

    /** Removes the team, every game it plays in, and the bets placed on it. */
    method DeleteTeam(teamId: Id)
      modifies this
      requires Valid()
      ensures Valid()
      ensures teams == Filter(old(teams), NotTeam(teamId))
      ensures games == Filter(old(games), GameWithout(teamId))
      ensures bets == Filter(old(bets), BetNotBy(teamId))
      ensures competitions == old(competitions) && selectedCompetition == old(selectedCompetition)
    {
      FilterSorted(teams, NotTeam(teamId), TeamLe);
      FilterKeepsPlacedStakes(bets, BetNotBy(teamId));
      teams := Filter(teams, NotTeam(teamId));
      games := Filter(games, GameWithout(teamId));
      bets := Filter(bets, BetNotBy(teamId));
    }

    /** Removes the game and the bets placed on it. */
    method DeleteGame(gameId: Id)
      modifies this
      requires Valid()
      ensures Valid()
      ensures games == Filter(old(games), NotGame(gameId))
      ensures bets == Filter(old(bets), BetNotOn(gameId))
      ensures competitions == old(competitions) && teams == old(teams)
      ensures selectedCompetition == old(selectedCompetition)
    {
      FilterKeepsPlacedStakes(bets, BetNotOn(gameId));
      games := Filter(games, NotGame(gameId));
      bets := Filter(bets, BetNotOn(gameId));
    }

    /** Removes only the bet with that id. */
    method DeleteBet(betId: Id)
      modifies this
      requires Valid()
      ensures Valid()
      ensures bets == Filter(old(bets), NotBet(betId))
      ensures competitions == old(competitions) && teams == old(teams) && games == old(games)
      ensures selectedCompetition == old(selectedCompetition)
    {
      FilterKeepsPlacedStakes(bets, NotBet(betId));
      bets := Filter(bets, NotBet(betId));
    }

    /** Flips the favourite flag of the team in place, then re-sorts the teams. */
    method ToggleFavorite(teamId: Id)
      modifies this
      requires Valid()
      ensures Valid()
      ensures teams == Sort(ToggledFavorites(old(teams), teamId), TeamLe)
      ensures multiset(teams) == multiset(ToggledFavorites(old(teams), teamId))
      ensures competitions == old(competitions) && games == old(games) && bets == old(bets)
      ensures selectedCompetition == old(selectedCompetition)
    {
      var i := 0;
      while i < |teams|
        invariant 0 <= i <= |teams| == |old(teams)|
        invariant forall k :: 0 <= k < i ==> teams[k] == Toggle(old(teams)[k], teamId)
        invariant forall k :: i <= k < |teams| ==> teams[k] == old(teams)[k]
        invariant competitions == old(competitions) && games == old(games) && bets == old(bets)
        invariant selectedCompetition == old(selectedCompetition)
      {
        if teams[i].id == teamId {
          teams := teams[i := teams[i].(favorite := !teams[i].favorite)];
        }
        i := i + 1;
      }
      assert teams == ToggledFavorites(old(teams), teamId);
      TeamLeTotalPreorder();
      SortSorted(teams, TeamLe);
      SortPermutes(teams, TeamLe);
      teams := Sort(teams, TeamLe);
    }

    /** Writes the outcome on the first game with that id and settles every
        bet on that game: a win on a draw, a loss otherwise. An unknown id
        changes nothing. */
    method UpdateGameResult(gameId: Id, outcome: GameOutcome)
      modifies this
      requires Valid()
      ensures Valid()
      ensures FindGame(old(games), gameId) == -1 ==> games == old(games) && bets == old(bets)
      ensures FindGame(old(games), gameId) != -1 ==>
        var i := FindGame(old(games), gameId);
        && games == old(games)[i := old(games)[i].(result := Some(outcome))]
        && bets == SettleBets(old(bets), gameId, outcome)
      ensures competitions == old(competitions) && teams == old(teams)
      ensures selectedCompetition == old(selectedCompetition)
    {
      var gameIndex := FindGame(games, gameId);
      if gameIndex != -1 {
        games := games[gameIndex := games[gameIndex].(result := Some(outcome))];
        var j := 0;
        while j < |bets|
          invariant 0 <= j <= |bets| == |old(bets)|
          invariant forall k :: 0 <= k < j ==> bets[k] == SettleBet(old(bets)[k], gameId, outcome)
          invariant forall k :: j <= k < |bets| ==> bets[k] == old(bets)[k]
          invariant competitions == old(competitions) && teams == old(teams)
          invariant games == old(games)[gameIndex := old(games)[gameIndex].(result := Some(outcome))]
          invariant selectedCompetition == old(selectedCompetition)
        {
          if bets[j].gameId == gameId {
            bets := bets[j := bets[j].(result := Some(BetResultFor(outcome)))];
          }
          j := j + 1;
        }
        assert bets == SettleBets(old(bets), gameId, outcome);
      }
    }

    /** The stake suggested for the team's next bet: one unit, or more while
        it is on a losing streak. */
    method NextBetAmountFor(teamId: Id, currentOdds: Option<real>) returns (r: real)
      requires Valid()
      ensures r == NextBetAmount(bets, teamId, currentOdds)
      ensures r >= 1.0
    {
      PlacedStakesNonNegative(bets);
      NextBetAmountAtLeastOne(bets, teamId, currentOdds);
      r := NextBetAmount(bets, teamId, currentOdds);
    }

    /** What the team has staked and lost since its last win. */
    method DrawdownOf(teamId: Id) returns (d: real)
      requires Valid()
      ensures d == Drawdown(bets, teamId)
      ensures d >= 0.0
    {
      PlacedStakesNonNegative(bets);
      DrawdownNonNegative(bets, teamId);
      d := Drawdown(bets, teamId);
    }

    /** What the team's winning bets have paid out. */
    method TotalWinningsOf(teamId: Id) returns (w: real)
      requires Valid()
      ensures w == TotalWinnings(bets, teamId)
      ensures w >= 0.0
    {
      PlacedStakesNonNegative(bets);
      TotalWinningsNonNegative(bets, teamId);
      w := TotalWinnings(bets, teamId);
    }
  }
}

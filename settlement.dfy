/** Settlement (script.js, `updateGameResult`): the result written on a
    game decides every bet on that game, whichever side the bet backed. */
module Settlement {
  import opened Records
  import opened Sequences
  import opened Sorting
  import opened Staking

  /** `result === 'draw' ? 'win' : 'loss'`. */
  function BetResultFor(outcome: GameOutcome): (r: BetResult)
    ensures r == Win <==> outcome == Draw
  {
    if outcome == Draw then Win else Loss
  }

  /** The body of the `forEach` over the bets. */
  function SettleBet(b: Bet, gameId: Id, outcome: GameOutcome): (r: Bet)
    ensures r.id == b.id && r.gameId == b.gameId && r.teamId == b.teamId
    ensures r.competitionId == b.competitionId && r.amount == b.amount
    ensures r.odds == b.odds && r.createdAt == b.createdAt
    ensures b.gameId == gameId ==> IsSettled(r) && (IsWin(r) <==> outcome == Draw)
    ensures b.gameId != gameId ==> r == b
  {
    if b.gameId == gameId then b.(result := Some(BetResultFor(outcome))) else b
  }

  /** Every bet after settling `gameId` with `outcome`. */
  function SettleBets(bets: seq<Bet>, gameId: Id, outcome: GameOutcome): (r: seq<Bet>)
    ensures |r| == |bets|
  {
    seq(|bets|, i requires 0 <= i < |bets| => SettleBet(bets[i], gameId, outcome))
  }

  /** `games.findIndex(g => g.id === gameId)`: the first game with that id, or -1. */
  function FindGame(games: seq<Game>, gameId: Id): (i: int)
    ensures -1 <= i < |games|
    ensures i >= 0 ==> games[i].id == gameId
    ensures forall j :: 0 <= j < |games| && (i == -1 || j < i) ==> games[j].id != gameId
  {
    if games == [] then -1
    else if games[0].id == gameId then 0
    else
      var k := FindGame(games[1..], gameId);
      if k == -1 then -1 else k + 1
  }

  lemma SettleBetsSnoc(s: seq<Bet>, b: Bet, gameId: Id, outcome: GameOutcome)
    ensures SettleBets(s + [b], gameId, outcome) == SettleBets(s, gameId, outcome) + [SettleBet(b, gameId, outcome)]
  {
  }

  lemma SettleBetsTail(s: seq<Bet>, gameId: Id, outcome: GameOutcome)
    requires s != []
    ensures SettleBets(s, gameId, outcome)[1..] == SettleBets(s[1..], gameId, outcome)
  {
  }

  /** Settling again overwrites: only the latest outcome for a game counts. */
  lemma SettleAgainOverwrites(bets: seq<Bet>, gameId: Id, first: GameOutcome, second: GameOutcome)
    ensures SettleBets(SettleBets(bets, gameId, first), gameId, second) == SettleBets(bets, gameId, second)
  {
  }

  /** Settlement never changes a bet's team, so it commutes with taking one team's bets. */
  lemma {:induction false} SettleTeamBets(bets: seq<Bet>, gameId: Id, outcome: GameOutcome, teamId: Id)
    ensures TeamBets(SettleBets(bets, gameId, outcome), teamId) == SettleBets(TeamBets(bets, teamId), gameId, outcome)
  {
    if bets != [] {
      SettleTeamBets(bets[1..], gameId, outcome, teamId);
      SettleBetsTail(bets, gameId, outcome);
      var r := SettleBets(bets, gameId, outcome);
      assert r[0] == SettleBet(bets[0], gameId, outcome);
      if bets[0].teamId == teamId {
        assert TeamBets(bets, teamId) == [bets[0]] + TeamBets(bets[1..], teamId);
        assert SettleBets([bets[0]] + TeamBets(bets[1..], teamId), gameId, outcome)
            == [SettleBet(bets[0], gameId, outcome)] + SettleBets(TeamBets(bets[1..], teamId), gameId, outcome);
      }
    }
  }

  /** Settlement never changes a creation time, so it commutes with the stable sort. */
  lemma {:induction false} SettleInsert(x: Bet, t: seq<Bet>, gameId: Id, outcome: GameOutcome)
    ensures Insert(SettleBet(x, gameId, outcome), SettleBets(t, gameId, outcome), CreatedNoLater)
         == SettleBets(Insert(x, t, CreatedNoLater), gameId, outcome)
  {
    if t != [] && !CreatedNoLater(x, t[0]) {
      SettleInsert(x, t[1..], gameId, outcome);
      SettleBetsTail(t, gameId, outcome);
      assert SettleBets([t[0]] + Insert(x, t[1..], CreatedNoLater), gameId, outcome)
          == [SettleBet(t[0], gameId, outcome)] + SettleBets(Insert(x, t[1..], CreatedNoLater), gameId, outcome);
    } else {
      assert SettleBets([x] + t, gameId, outcome) == [SettleBet(x, gameId, outcome)] + SettleBets(t, gameId, outcome);
    }
  }

  lemma {:induction false} SettleByCreation(s: seq<Bet>, gameId: Id, outcome: GameOutcome)
    ensures ByCreation(SettleBets(s, gameId, outcome)) == SettleBets(ByCreation(s), gameId, outcome)
  {
    if s != [] {
      SettleByCreation(s[1..], gameId, outcome);
      SettleBetsTail(s, gameId, outcome);
      SettleInsert(s[0], ByCreation(s[1..]), gameId, outcome);
    }
  }

  /** A draw on the game of a team's newest bet resets its next stake to one unit. */
  lemma NextBetAmountAfterDraw(bets: seq<Bet>, gameId: Id, teamId: Id, currentOdds: Option<real>)
    requires var h := ByCreation(TeamBets(bets, teamId)); |h| > 0 && h[|h| - 1].gameId == gameId
    ensures NextBetAmount(SettleBets(bets, gameId, Draw), teamId, currentOdds) == 1.0
  {
    SettleTeamBets(bets, gameId, Draw, teamId);
    SettleByCreation(TeamBets(bets, teamId), gameId, Draw);
  }

  lemma {:induction false} RunningDrawdownNoDraw(s: seq<Bet>, gameId: Id)
    requires NonNegativeAmounts(s)
    ensures RunningDrawdown(SettleBets(s, gameId, NoDraw)) >= RunningDrawdown(s)
  {
    if s != [] {
      var p, b := s[..|s| - 1], s[|s| - 1];
      assert s == p + [b];
      assert NonNegativeAmounts(p);
      RunningDrawdownNoDraw(p, gameId);
      var sp := SettleBets(p, gameId, NoDraw);
      SettleBetsSnoc(p, b, gameId, NoDraw);
      RunningDrawdownSnoc(p, b);
      RunningDrawdownSnoc(sp, SettleBet(b, gameId, NoDraw));
      assert NonNegativeAmounts(sp);
      RunningDrawdownNonNegative(sp);
    }
  }

  /** A game that ends without a draw never lowers any team's drawdown. */
  lemma DrawdownNeverFallsOnNoDraw(bets: seq<Bet>, gameId: Id, teamId: Id)
    requires NonNegativeAmounts(bets)
    ensures Drawdown(SettleBets(bets, gameId, NoDraw), teamId) >= Drawdown(bets, teamId)
  {
    var t := TeamBets(bets, teamId);
    FilterContents(bets, OnTeam(teamId));
    assert NonNegativeAmounts(t) by {
      forall i | 0 <= i < |t| ensures t[i].amount >= 0.0 {
        assert t[i] in bets;
      }
    }
    SettleTeamBets(bets, gameId, NoDraw, teamId);
    DrawdownIsRunning(bets, teamId);
    DrawdownIsRunning(SettleBets(bets, gameId, NoDraw), teamId);
    RunningDrawdownNoDraw(t, gameId);
  }

  /** A draw on the game of a team's latest bet clears its drawdown. */
  lemma DrawdownClearedByDraw(bets: seq<Bet>, gameId: Id, teamId: Id)
    requires var t := TeamBets(bets, teamId); |t| > 0 && t[|t| - 1].gameId == gameId
    ensures Drawdown(SettleBets(bets, gameId, Draw), teamId) == 0.0
  {
    var t := TeamBets(bets, teamId);
    SettleTeamBets(bets, gameId, Draw, teamId);
    DrawdownIsRunning(SettleBets(bets, gameId, Draw), teamId);
    var st := SettleBets(t, gameId, Draw);
    assert st == st[..|st| - 1] + [st[|st| - 1]];
    RunningDrawdownSnoc(st[..|st| - 1], st[|st| - 1]);
  }

  /** A game without a draw never raises a team's winnings. */
  lemma {:induction false} WinningsNeverRiseOnNoDraw(bets: seq<Bet>, gameId: Id, teamId: Id)
    requires NonNegativeStakes(bets)
    ensures TotalWinnings(SettleBets(bets, gameId, NoDraw), teamId) <= TotalWinnings(bets, teamId)
  {
    if bets != [] {
      var p, b := bets[..|bets| - 1], bets[|bets| - 1];
      assert bets == p + [b];
      assert NonNegativeStakes(p);
      WinningsNeverRiseOnNoDraw(p, gameId, teamId);
      var b' := SettleBet(b, gameId, NoDraw);
      assert b.amount * b.odds >= 0.0;
      assert Payout(b', teamId) <= Payout(b, teamId);
      SettleBetsSnoc(p, b, gameId, NoDraw);
      TotalWinningsAfterBet(p, b, teamId);
      TotalWinningsAfterBet(SettleBets(p, gameId, NoDraw), b', teamId);
    }
  }

  /** A draw never lowers a team's winnings. */
  lemma {:induction false} WinningsNeverFallOnDraw(bets: seq<Bet>, gameId: Id, teamId: Id)
    requires NonNegativeStakes(bets)
    ensures TotalWinnings(SettleBets(bets, gameId, Draw), teamId) >= TotalWinnings(bets, teamId)
  {
    if bets != [] {
      var p, b := bets[..|bets| - 1], bets[|bets| - 1];
      assert bets == p + [b];
      assert NonNegativeStakes(p);
      WinningsNeverFallOnDraw(p, gameId, teamId);
      var b' := SettleBet(b, gameId, Draw);
      assert b.amount * b.odds >= 0.0;
      assert Payout(b', teamId) >= Payout(b, teamId);
      SettleBetsSnoc(p, b, gameId, Draw);
      TotalWinningsAfterBet(p, b, teamId);
      TotalWinningsAfterBet(SettleBets(p, gameId, Draw), b', teamId);
    }
  }
}

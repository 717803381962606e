/** Worked examples of the staking rule on one team's bets: two losses of one
    unit, then a win at odds 2 with the suggested stake. */
module Scenarios {
  import opened Records
  import opened Sequences
  import opened Staking

  function FirstLoss(): Bet {
    Bet("b1", "g1", "t", "c", 1.0, 2.0, Some(Loss), 1)
  }

  function SecondLoss(): Bet {
    Bet("b2", "g2", "t", "c", 1.0, 2.0, Some(Loss), 2)
  }

  function RecoveryWin(): Bet {
    Bet("b3", "g3", "t", "c", 1.625, 2.0, Some(Win), 3)
  }

  /** No bets: the stake is one unit whatever the odds. */
  lemma NoBetsStakeOne(currentOdds: Option<real>)
    ensures NextBetAmount([], "t", currentOdds) == 1.0
  {
  }

  /** Two lost unit bets: the drawdown is 2, and the stake at odds 2 recovers
      only the first loss (the newest bet is left out): 1 * 1.25 / 2 + 1. */
  lemma TwoLossesThenStake()
    ensures Drawdown([FirstLoss(), SecondLoss()], "t") == 2.0
    ensures NextBetAmount([FirstLoss(), SecondLoss()], "t", Some(2.0)) == 1.625
  {
    var s := [FirstLoss(), SecondLoss()];
    assert TeamBets(s, "t") == s;
    assert Filter(s, IsSettled) == s;
    assert ByCreation(s) == s;
    assert LastWinIndex(s) == -1;
    assert LosingStreak(s) == [FirstLoss()];
    assert SumAmounts([FirstLoss()]) == 1.0;
  }

  /** Winning the recovery bet pays 3.25 and resets both the stake and the drawdown. */
  lemma WinResets()
    ensures TotalWinnings([FirstLoss(), SecondLoss(), RecoveryWin()], "t") == 3.25
    ensures NextBetAmount([FirstLoss(), SecondLoss(), RecoveryWin()], "t", Some(2.0)) == 1.0
    ensures Drawdown([FirstLoss(), SecondLoss(), RecoveryWin()], "t") == 0.0
  {
    var s := [FirstLoss(), SecondLoss(), RecoveryWin()];
    assert TeamBets(s, "t") == s;
    assert Filter(s, IsSettled) == s;
    assert Filter(s, IsWin) == [RecoveryWin()];
    assert ByCreation(s) == s;
    assert LastWinIndex(s) == 2;
  }
}

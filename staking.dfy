/** The staking engine: the recommended next stake, the drawdown and the
    total winnings of one team, computed from the bet records alone
    (script.js, `calculateNextBetAmount`, `calculateDrawdown`,
    `calculateTotalWinnings`). Money is exact `real`. */
module Staking {
  import opened Records
  import opened Sequences
  import opened Sorting

  /** The filter `b => b.teamId === teamId`. */
  function OnTeam(teamId: Id): Bet -> bool {
    (b: Bet) => b.teamId == teamId
  }

  /** One team's bets, in the order the store holds them. */
  function TeamBets(bets: seq<Bet>, teamId: Id): seq<Bet> {
    Filter(bets, OnTeam(teamId))
  }

  /** The bet comparator `(a, b) => a.createdAt - b.createdAt` as "no later than". */
  predicate CreatedNoLater(a: Bet, b: Bet) {
    a.createdAt <= b.createdAt
  }

  /** The team's bets sorted (stably) by creation time. */
  function ByCreation(s: seq<Bet>): seq<Bet> {
    Sort(s, CreatedNoLater)
  }

  predicate NonNegativeAmounts(s: seq<Bet>) {
    forall i :: 0 <= i < |s| ==> s[i].amount >= 0.0
  }

  /** `s.map(b => b.result).lastIndexOf('win')`. */
  function LastWinIndex(s: seq<Bet>): (r: int)
    ensures -1 <= r < |s|
    ensures r >= 0 ==> IsWin(s[r])
    ensures forall j :: r < j < |s| ==> !IsWin(s[j])
  {
    if s == [] then -1
    else if IsWin(s[|s| - 1]) then |s| - 1
    else LastWinIndex(s[..|s| - 1])
  }

  /** The bets after the last win, or all of them when none won. */
  function AfterLastWin(s: seq<Bet>): seq<Bet> {
    var k := LastWinIndex(s);
    if k == -1 then s else s[k + 1..]
  }

  /** `slice(0, -1)`: everything but the final element. */
  function DropLast<T>(s: seq<T>): seq<T> {
    if s == [] then [] else s[..|s| - 1]
  }

  /** The losses to recover: the bets after the last win, without the
      newest bet, which the rule leaves out. */
  function LosingStreak(history: seq<Bet>): seq<Bet> {
    DropLast(AfterLastWin(history))
  }

  /** `reduce((sum, bet) => sum + bet.amount, 0)`. */
  function SumAmounts(s: seq<Bet>): real {
    if s == [] then 0.0 else SumAmounts(s[..|s| - 1]) + s[|s| - 1].amount
  }

  /** Recover the losses plus 25%, at the given odds when they are usable,
      then add one unit. */
  function RecoveryStake(losses: real, currentOdds: Option<real>): real {
    if currentOdds.Some? && currentOdds.value > 0.0 then losses * 1.25 / currentOdds.value + 1.0
    else losses * 1.25 + 1.0
  }

  /** The stake rule applied to a team's history in creation order. */
  function StakeFor(history: seq<Bet>, currentOdds: Option<real>): real {
    if history == [] then 1.0
    else if IsWin(history[|history| - 1]) then 1.0
    else if LosingStreak(history) == [] then 1.0
    else RecoveryStake(SumAmounts(LosingStreak(history)), currentOdds)
  }

  /** `calculateNextBetAmount(teamId, currentOdds)`. */
  function NextBetAmount(bets: seq<Bet>, teamId: Id, currentOdds: Option<real>): (r: real)
    ensures TeamBets(bets, teamId) == [] ==> r == 1.0
  {
    StakeFor(ByCreation(TeamBets(bets, teamId)), currentOdds)
  }

  /** `calculateDrawdown(teamId)`: the amounts of the completed bets after the
      last completed win. It uses the store's order and does not sort. */
  function Drawdown(bets: seq<Bet>, teamId: Id): real {
    var completed := Filter(TeamBets(bets, teamId), IsSettled);
    if completed == [] then 0.0
    else
      var afterLastWin := AfterLastWin(completed);
      if afterLastWin == [] then 0.0 else SumAmounts(afterLastWin)
  }

  /** `reduce((sum, bet) => sum + bet.amount * bet.odds, 0)`. */
  function SumPayouts(s: seq<Bet>): real {
    if s == [] then 0.0 else SumPayouts(s[..|s| - 1]) + s[|s| - 1].amount * s[|s| - 1].odds
  }

  /** `calculateTotalWinnings(teamId)`. */
  function TotalWinnings(bets: seq<Bet>, teamId: Id): real {
    var completed := Filter(TeamBets(bets, teamId), IsSettled);
    SumPayouts(Filter(completed, IsWin))
  }

  // ---------------------------------------------------------------------
  // Reference definitions

  /** The longest suffix of `s` that holds no win. */
  function TrailingNonWins(s: seq<Bet>): (r: seq<Bet>)
    ensures |r| <= |s|
  {
    if s == [] || IsWin(s[|s| - 1]) then []
    else TrailingNonWins(s[..|s| - 1]) + [s[|s| - 1]]
  }

  /** `TrailingNonWins` is a suffix, holds no win, and cannot be extended. */
  lemma {:induction false} TrailingNonWinsIsMaximal(s: seq<Bet>)
    ensures TrailingNonWins(s) == s[|s| - |TrailingNonWins(s)|..]
    ensures forall i :: 0 <= i < |TrailingNonWins(s)| ==> !IsWin(TrailingNonWins(s)[i])
    ensures |TrailingNonWins(s)| < |s| ==> IsWin(s[|s| - |TrailingNonWins(s)| - 1])
  {
    if s != [] && !IsWin(s[|s| - 1]) {
      var p := s[..|s| - 1];
      TrailingNonWinsIsMaximal(p);
      var r := TrailingNonWins(p);
      assert TrailingNonWins(s) == r + [s[|s| - 1]];
      assert p[|p| - |r|..] + [s[|s| - 1]] == s[|s| - |r| - 1..];
    }
  }

  /** Drawdown as a running total over the bets in order: a pending bet
      changes nothing, a loss adds its amount, a win clears the total. */
  function RunningDrawdown(s: seq<Bet>): real {
    if s == [] then 0.0
    else
      var b := s[|s| - 1];
      match b.result
      case None => RunningDrawdown(s[..|s| - 1])
      case Some(Win) => 0.0
      case Some(Loss) => RunningDrawdown(s[..|s| - 1]) + b.amount
  }

  // ---------------------------------------------------------------------
  // The last win

  /** The conditions on `k` determine the last win's index uniquely. */
  lemma LastWinIndexUnique(s: seq<Bet>, k: int)
    requires -1 <= k < |s|
    requires k >= 0 ==> IsWin(s[k])
    requires forall j :: k < j < |s| ==> !IsWin(s[j])
    ensures LastWinIndex(s) == k
  {
  }

  /** `lastIndexOf` plus `slice` is the longest win-free suffix. */
  lemma AfterLastWinIsTrailingNonWins(s: seq<Bet>)
    ensures AfterLastWin(s) == TrailingNonWins(s)
  {
    var r := TrailingNonWins(s);
    TrailingNonWinsIsMaximal(s);
    LastWinIndexUnique(s, |s| - |r| - 1);
  }

  // ---------------------------------------------------------------------
  // The next stake

  lemma {:induction false} SumAmountsNonNegative(s: seq<Bet>)
    requires NonNegativeAmounts(s)
    ensures SumAmounts(s) >= 0.0
  {
    if s != [] {
      assert NonNegativeAmounts(s[..|s| - 1]);
      SumAmountsNonNegative(s[..|s| - 1]);
    }
  }

  lemma SumAmountsSnoc(s: seq<Bet>, b: Bet)
    ensures SumAmounts(s + [b]) == SumAmounts(s) + b.amount
  {
    assert (s + [b])[..|s|] == s;
  }

  /** The recovery stake is at least one unit and grows with the losses. */
  lemma RecoveryStakeMonotone(x: real, y: real, currentOdds: Option<real>)
    requires 0.0 <= x <= y
    ensures 1.0 <= RecoveryStake(x, currentOdds) <= RecoveryStake(y, currentOdds)
  {
    if currentOdds.Some? && currentOdds.value > 0.0 {
      var o := currentOdds.value;
      assert x * 1.25 / o <= y * 1.25 / o by {
        assert x * 1.25 <= y * 1.25;
      }
      assert 0.0 <= x * 1.25 / o;
    }
  }

  /** The stake in terms of the position `k` of the last win (-1 if none):
      one unit when no bet lies strictly between the last win and the
      newest bet, else the recovery stake of the bets in between. */
  lemma StakeForAfterLastWin(history: seq<Bet>, currentOdds: Option<real>, k: int)
    requires -1 <= k < |history|
    requires k >= 0 ==> IsWin(history[k])
    requires forall j :: k < j < |history| ==> !IsWin(history[j])
    ensures StakeFor(history, currentOdds)
         == if k + 1 >= |history| - 1 then 1.0
            else RecoveryStake(SumAmounts(history[k + 1..|history| - 1]), currentOdds)
  {
    LastWinIndexUnique(history, k);
    if history != [] && !IsWin(history[|history| - 1]) {
      var after := AfterLastWin(history);
      assert after == history[k + 1..];
      assert LosingStreak(history) == history[k + 1..|history| - 1];
    }
  }

  lemma AmountsOfSlice(s: seq<Bet>, lo: int, hi: int)
    requires NonNegativeAmounts(s) && 0 <= lo <= hi <= |s|
    ensures SumAmounts(s[lo..hi]) >= 0.0
  {
    var t := s[lo..hi];
    forall i | 0 <= i < |t|
      ensures t[i].amount >= 0.0
    {
      assert t[i] == s[lo + i];
    }
    SumAmountsNonNegative(t);
  }

  /** With non-negative amounts the recommended stake is never below one unit. */
  lemma StakeAtLeastOne(history: seq<Bet>, currentOdds: Option<real>)
    requires NonNegativeAmounts(history)
    ensures StakeFor(history, currentOdds) >= 1.0
  {
    var k := LastWinIndex(history);
    StakeForAfterLastWin(history, currentOdds, k);
    if k + 1 < |history| - 1 {
      AmountsOfSlice(history, k + 1, |history| - 1);
      RecoveryStakeMonotone(0.0, SumAmounts(history[k + 1..|history| - 1]), currentOdds);
    }
  }

  /** A further unsettled or lost bet moves the previous newest bet into the streak. */
  lemma LosingStreakGrows(history: seq<Bet>, b: Bet)
    requires |history| > 0 && !IsWin(history[|history| - 1]) && !IsWin(b)
    ensures LosingStreak(history + [b]) == LosingStreak(history) + [history[|history| - 1]]
  {
    var h' := history + [b];
    var k := LastWinIndex(history);
    LastWinIndexUnique(h', k);
    assert AfterLastWin(h') == history[k + 1..] + [b];
    assert AfterLastWin(history) == history[k + 1..];
    assert history[k + 1..] == history[k + 1..|history| - 1] + [history[|history| - 1]];
  }

  /** A win resets the stake to one unit. */
  lemma StakeResetsAfterWin(history: seq<Bet>, b: Bet, currentOdds: Option<real>)
    requires IsWin(b)
    ensures StakeFor(history + [b], currentOdds) == 1.0
  {
  }

  lemma StreakSumGrows(history: seq<Bet>, b: Bet, k: int, currentOdds: Option<real>)
    requires NonNegativeAmounts(history) && -1 <= k && k + 1 < |history|
    ensures (if k + 1 >= |history| - 1 then 1.0
             else RecoveryStake(SumAmounts(history[k + 1..|history| - 1]), currentOdds))
         <= RecoveryStake(SumAmounts((history + [b])[k + 1..|history|]), currentOdds)
  {
    var n := |history|;
    var streak, grown := history[k + 1..n - 1], (history + [b])[k + 1..n];
    assert grown == streak + [history[n - 1]];
    SumAmountsSnoc(streak, history[n - 1]);
    AmountsOfSlice(history, k + 1, n - 1);
    assert history[n - 1].amount >= 0.0;
    RecoveryStakeMonotone(SumAmounts(streak), SumAmounts(grown), currentOdds);
  }

  /** Without a win the stake never shrinks as bets are added: the rule is a
      loss-recovery progression with no cap. The newest bet's own amount
      does not count, since the rule leaves the newest bet out. */
  lemma StakeNeverShrinksWithoutWin(history: seq<Bet>, b: Bet, currentOdds: Option<real>)
    requires NonNegativeAmounts(history) && !IsWin(b)
    ensures StakeFor(history + [b], currentOdds) >= StakeFor(history, currentOdds)
  {
    var h', n := history + [b], |history|;
    var k := LastWinIndex(history);
    assert forall j :: k < j < |h'| ==> !IsWin(h'[j]) by {
      assert forall j :: k < j < n ==> h'[j] == history[j];
    }
    StakeForAfterLastWin(history, currentOdds, k);
    StakeForAfterLastWin(h', currentOdds, k);
    if k + 1 < n {
      StreakSumGrows(history, b, k, currentOdds);
    }
  }

  lemma CreatedNoLaterTotalPreorder()
    ensures TotalPreorder(CreatedNoLater)
  {
  }

  /** The history the stake is computed from is a stably ordered permutation of the team's bets. */
  lemma ByCreationOrdered(s: seq<Bet>, b: Bet)
    ensures Sorted(ByCreation(s), CreatedNoLater)
    ensures multiset(ByCreation(s)) == multiset(s)
    ensures Filter(ByCreation(s), EquivalentTo(CreatedNoLater, b)) == Filter(s, EquivalentTo(CreatedNoLater, b))
  {
    CreatedNoLaterTotalPreorder();
    SortSorted(s, CreatedNoLater);
    SortPermutes(s, CreatedNoLater);
    SortStable(s, b, CreatedNoLater);
  }

  /** When the store already holds the team's bets in creation order (as it
      does when bets are appended with a clock that never goes back), the
      sort changes nothing. */
  lemma NextBetAmountInStoreOrder(bets: seq<Bet>, teamId: Id, currentOdds: Option<real>)
    requires Sorted(TeamBets(bets, teamId), CreatedNoLater)
    ensures NextBetAmount(bets, teamId, currentOdds) == StakeFor(TeamBets(bets, teamId), currentOdds)
  {
    SortOfSorted(TeamBets(bets, teamId), CreatedNoLater);
  }

  /** With non-negative amounts the recommended next bet is at least one unit. */
  lemma NextBetAmountAtLeastOne(bets: seq<Bet>, teamId: Id, currentOdds: Option<real>)
    requires NonNegativeAmounts(bets)
    ensures NextBetAmount(bets, teamId, currentOdds) >= 1.0
  {
    var t := TeamBets(bets, teamId);
    var h := ByCreation(t);
    SortPermutes(t, CreatedNoLater);
    FilterContents(bets, OnTeam(teamId));
    forall i | 0 <= i < |h|
      ensures h[i].amount >= 0.0
    {
      assert h[i] in multiset(h);
      assert h[i] in t;
      assert h[i] in bets;
    }
    StakeAtLeastOne(h, currentOdds);
  }

  // ---------------------------------------------------------------------
  // Drawdown

  lemma TrailingNonWinsSnoc(s: seq<Bet>, b: Bet)
    ensures TrailingNonWins(s + [b]) == if IsWin(b) then [] else TrailingNonWins(s) + [b]
  {
    assert (s + [b])[..|s|] == s;
  }

  /** One step of `SettledTrailingSum`: appending a bet keeps the two totals equal. */
  lemma SettledTrailingSumSnoc(p: seq<Bet>, b: Bet)
    requires SumAmounts(TrailingNonWins(Filter(p, IsSettled))) == RunningDrawdown(p)
    ensures SumAmounts(TrailingNonWins(Filter(p + [b], IsSettled))) == RunningDrawdown(p + [b])
  {
    var fp := Filter(p, IsSettled);
    FilterSnoc(p, b, IsSettled);
    RunningDrawdownSnoc(p, b);
    match b.result {
      case None =>
        assert Filter(p + [b], IsSettled) == fp;
      case Some(Win) =>
        TrailingNonWinsSnoc(fp, b);
      case Some(Loss) =>
        TrailingNonWinsSnoc(fp, b);
        SumAmountsSnoc(TrailingNonWins(fp), b);
    }
  }

  lemma {:induction false} SettledTrailingSum(s: seq<Bet>)
    ensures SumAmounts(TrailingNonWins(Filter(s, IsSettled))) == RunningDrawdown(s)
  {
    if s != [] {
      var p, b := s[..|s| - 1], s[|s| - 1];
      assert s == p + [b];
      SettledTrailingSum(p);
      SettledTrailingSumSnoc(p, b);
    }
  }

  /** `calculateDrawdown` agrees with the running total. */
  lemma DrawdownIsRunning(bets: seq<Bet>, teamId: Id)
    ensures Drawdown(bets, teamId) == RunningDrawdown(TeamBets(bets, teamId))
  {
    var completed := Filter(TeamBets(bets, teamId), IsSettled);
    SettledTrailingSum(TeamBets(bets, teamId));
    AfterLastWinIsTrailingNonWins(completed);
  }

  lemma RunningDrawdownSnoc(s: seq<Bet>, b: Bet)
    ensures RunningDrawdown(s + [b])
         == match b.result
            case None => RunningDrawdown(s)
            case Some(Win) => 0.0
            case Some(Loss) => RunningDrawdown(s) + b.amount
  {
    assert (s + [b])[..|s|] == s;
  }

  /** How one more bet changes a team's drawdown: a pending bet or another
      team's bet changes nothing, a loss adds its stake, a win clears it. */
  lemma DrawdownAfterBet(bets: seq<Bet>, b: Bet, teamId: Id)
    ensures Drawdown(bets + [b], teamId)
         == if b.teamId != teamId || b.result == None then Drawdown(bets, teamId)
            else if IsWin(b) then 0.0
            else Drawdown(bets, teamId) + b.amount
  {
    FilterSnoc(bets, b, OnTeam(teamId));
    DrawdownIsRunning(bets + [b], teamId);
    DrawdownIsRunning(bets, teamId);
    if b.teamId == teamId {
      assert TeamBets(bets + [b], teamId) == TeamBets(bets, teamId) + [b];
      RunningDrawdownSnoc(TeamBets(bets, teamId), b);
    } else {
      assert TeamBets(bets + [b], teamId) == TeamBets(bets, teamId);
    }
  }

  lemma {:induction false} RunningDrawdownNonNegative(s: seq<Bet>)
    requires NonNegativeAmounts(s)
    ensures RunningDrawdown(s) >= 0.0
  {
    if s != [] {
      assert NonNegativeAmounts(s[..|s| - 1]);
      RunningDrawdownNonNegative(s[..|s| - 1]);
    }
  }

  /** With non-negative amounts the drawdown is never negative. */
  lemma DrawdownNonNegative(bets: seq<Bet>, teamId: Id)
    requires NonNegativeAmounts(bets)
    ensures Drawdown(bets, teamId) >= 0.0
  {
    var t := TeamBets(bets, teamId);
    FilterContents(bets, OnTeam(teamId));
    forall i | 0 <= i < |t|
      ensures t[i].amount >= 0.0
    {
      assert t[i] in bets;
    }
    RunningDrawdownNonNegative(t);
    DrawdownIsRunning(bets, teamId);
  }

  // ---------------------------------------------------------------------
  // Total winnings

  lemma SumPayoutsSnoc(s: seq<Bet>, b: Bet)
    ensures SumPayouts(s + [b]) == SumPayouts(s) + b.amount * b.odds
  {
    assert (s + [b])[..|s|] == s;
  }

  /** What one bet pays out to the team: `amount * odds` if it is a win of that team. */
  function Payout(b: Bet, teamId: Id): real {
    if b.teamId == teamId && IsWin(b) then b.amount * b.odds else 0.0
  }

  /** How one more bet changes a team's winnings: only a win of that team
      adds, and it adds `amount * odds`. */
  lemma TotalWinningsAfterBet(bets: seq<Bet>, b: Bet, teamId: Id)
    ensures TotalWinnings(bets + [b], teamId)
         == TotalWinnings(bets, teamId) + Payout(b, teamId)
  {
    var t := TeamBets(bets, teamId);
    var c := Filter(t, IsSettled);
    FilterSnoc(bets, b, OnTeam(teamId));
    if b.teamId == teamId {
      assert TeamBets(bets + [b], teamId) == t + [b];
      FilterSnoc(t, b, IsSettled);
      if IsSettled(b) {
        assert Filter(t + [b], IsSettled) == c + [b];
        FilterSnoc(c, b, IsWin);
        if IsWin(b) {
          assert Filter(c + [b], IsWin) == Filter(c, IsWin) + [b];
          SumPayoutsSnoc(Filter(c, IsWin), b);
        } else {
          assert Filter(c + [b], IsWin) == Filter(c, IsWin);
        }
      } else {
        assert Filter(t + [b], IsSettled) == c;
      }
    } else {
      assert TeamBets(bets + [b], teamId) == t;
    }
  }

  predicate NonNegativeStakes(s: seq<Bet>) {
    forall i :: 0 <= i < |s| ==> s[i].amount >= 0.0 && s[i].odds >= 0.0
  }

  /** With non-negative amounts and odds the winnings are never negative. */
  lemma {:induction false} TotalWinningsNonNegative(bets: seq<Bet>, teamId: Id)
    requires NonNegativeStakes(bets)
    ensures TotalWinnings(bets, teamId) >= 0.0
  {
    if bets != [] {
      var p, b := bets[..|bets| - 1], bets[|bets| - 1];
      assert bets == p + [b];
      assert NonNegativeStakes(p);
      TotalWinningsNonNegative(p, teamId);
      TotalWinningsAfterBet(p, b, teamId);
      assert b.amount * b.odds >= 0.0;
    }
  }
}

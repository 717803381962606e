# Draw betting tracker: store, settlement and staking engine

This Dafny project models the core of `DrawBettingTracker` in `script.js`. The tracker keeps four collections of records: competitions, teams, games and bets.

A bet is always a bet that a game ends in a draw. The tracker suggests the stake for a team's next bet with a loss-recovery rule, and it reports the team's drawdown and total winnings.

The model has these parts:

- `Records`: the four record kinds, as values.
- `Sequences`: `Array.prototype.filter`, and the facts every delete and query relies on.
- `Sorting`: the stable sort behind `Array.prototype.sort` with a consistent comparator. Insertion sort is its specification, and the model proves that it yields a sorted permutation that keeps the input order of equivalent elements.
- `TeamOrder`: the team comparator, favourites first and then by name.
- `Staking`: the three calculations `calculateNextBetAmount`, `calculateDrawdown` and `calculateTotalWinnings`. Each is a function over a sequence of bets, with independent reference definitions and lemmas about how each changes when one more bet arrives.
- `Settlement`: `updateGameResult` on the bets, and how settling a game moves the stake, the drawdown and the winnings.
- `Odds`: the lookup of the draw odds that the team view feeds into the stake rule.
- `Store`: the class `Tracker`.
  - Its fields are the four sequences and the selected competition.
  - The add operations append.
  - The deletes re-filter, cascading.
  - `ToggleFavorite` flips flags in a loop and re-sorts.
  - `UpdateGameResult` settles the bets in a loop.
  - `Valid()` is kept by every method: the teams are ordered and every bet has a positive stake and odds of at least one.
- `Scenarios`: worked examples of the staking rule.

Amounts and odds are exact reals. Timestamps are natural numbers of milliseconds. Ids are strings supplied by the caller.

The game form rejects equal home and away teams (script.js:1112-1115). `addGame` itself does not (script.js:127-148), so `Store.Tracker.AddGame` accepts them.

## Model

| member | source | states |
|---|---|---|
| Sequences.FilterContents | script.js:57-67 | a filtered collection holds exactly the elements that pass the test: every survivor passes, and every element that passes survives |
| Sequences.FilterAppend | script.js:57-67 | filtering distributes over concatenation, so survivors keep their relative order |
| Sequences.FilterIdempotent | script.js:243-261 | filtering twice by the same test equals filtering once, so repeating a delete is a no-op |
| Sequences.FilterAllKept | script.js:254-261 | filtering a sequence whose every element passes returns it unchanged |
| Sorting.SortPermutes | script.js:84-92 | the sort's result is a permutation of its input |
| Sorting.SortSorted | script.js:84-92 | with a total preorder, the sort's result is ordered |
| Sorting.SortStable | script.js:84-92 | elements the comparator ranks equal come out in their input order |
| Sorting.Sort | script.js:85-91 | keeps the length; `Sorting.SortPermutes`, `SortSorted` and `SortStable` characterise it as a stable sort: a permutation, ordered, and equivalent elements keep their order |
| Sorting.SortOfSorted | script.js:84-92 | sorting an ordered sequence leaves it unchanged |
| Sorting.FilterSorted | script.js:57-67 | removing elements from an ordered sequence leaves it ordered |
| Sorting.SortSortedPlusOne | script.js:84-92 | sorting an ordered sequence with one element pushed on the end inserts that element at some position `k` and leaves every other element in order |
| TeamOrder.TeamLeTotalPreorder | script.js:85-91 | the favourites-first, then-by-name comparator is total and transitive |
| TeamOrder.NameLeTotal | script.js:91 | any two names are comparable |
| TeamOrder.NameLeTransitive | script.js:91 | the name order is transitive |
| TeamOrder.NameLeAntisymmetric | script.js:91 | names equal in both directions are the same name |
| TeamOrder.TeamLe | script.js:85-91 | no contract of its own; `TeamOrder.TeamLeTotalPreorder` makes it a total preorder, `FavoritesFirst` and `NamesAscendWithinGroup` say what a sort by it yields |
| TeamOrder.FavoritesFirst | script.js:85-90 | in an ordered team list every favourite comes before every non-favourite |
| TeamOrder.NamesAscendWithinGroup | script.js:91 | among teams with the same flag, names never descend |
| Staking.NextBetAmount | script.js:170-177 | a team with no bets gets a stake of 1 |
| Staking.ByCreationOrdered | script.js:171-173 | the team's bets sorted by creation time are ordered, a permutation of the team's bets, and keep store order among bets created at the same time |
| Staking.NextBetAmountInStoreOrder | script.js:171-173 | when the team's bets are already in creation order, the stake is the rule applied to them in store order |
| Staking.LastWinIndex | script.js:185 | the index is -1 or a win, and no later bet is a win |
| Staking.LastWinIndexUnique | script.js:185 | any index with those properties is the one `lastIndexOf` finds |
| Staking.TrailingNonWinsIsMaximal | script.js:187-190 | the reference run after the last win is a suffix, holds no win, and cannot be extended |
| Staking.ByCreation | script.js:171-173 | no contract of its own; `Staking.ByCreationOrdered` states that it is a permutation of the bets ordered by creation time, and `Sorting.SortStable` that ties keep store order |
| Staking.RecoveryStake | script.js:199-210 | no contract of its own; `Staking.RecoveryStakeMonotone` states that it is at least 1 and grows with the losses to recover |
| Staking.StakeFor | script.js:175-210 | no contract of its own; `Staking.StakeForAfterLastWin` ties it to the bets after the last win, `StakeAtLeastOne` bounds it, `StakeResetsAfterWin` and `StakeNeverShrinksWithoutWin` relate consecutive histories |
| Staking.Drawdown | script.js:214-230 | no contract of its own; `Staking.DrawdownIsRunning` ties it to the running sum `RunningDrawdown`, `DrawdownAfterBet` gives its step, `DrawdownNonNegative` its bound |
| Staking.TotalWinnings | script.js:233-240 | no contract of its own; `Staking.TotalWinningsAfterBet` gives its step per added bet, `TotalWinningsNonNegative` its bound |
| Staking.AfterLastWinIsTrailingNonWins | script.js:187-190 | slicing after `lastIndexOf('win')` yields exactly the longest win-free suffix |
| Staking.StakeResetsAfterWin | script.js:179-182 | when the newest bet is a win, the stake is 1 |
| Staking.StakeForAfterLastWin | script.js:184-210 | for the last win at `k` (-1 if none), the stake is 1 when no bet lies strictly between it and the newest bet; otherwise it is the recovery stake of the amounts in between |
| Staking.RecoveryStakeMonotone | script.js:199-210 | for losses `0 <= x <= y`, `1 <= recovery(x) <= recovery(y)` with or without usable odds |
| Staking.StakeAtLeastOne | script.js:170-210 | with non-negative amounts the stake is at least 1 |
| Staking.NextBetAmountAtLeastOne | script.js:170-210 | with non-negative amounts `calculateNextBetAmount` returns at least 1 |
| Staking.LosingStreakGrows | script.js:184-193 | after a non-winning newest bet, one more non-winning bet adds exactly the previous newest bet to the streak that is recovered |
| Staking.StakeNeverShrinksWithoutWin | script.js:184-210 | with non-negative amounts, a further bet that is not a win never lowers the stake |
| Staking.SumAmountsSnoc | script.js:200 | the sum of amounts grows by the amount of the bet appended |
| Staking.SumAmountsNonNegative | script.js:200 | non-negative amounts sum to a non-negative total |
| Staking.SettledTrailingSum | script.js:214-230 | the sum over the completed bets after the last completed win equals the running total in which a pending bet changes nothing, a loss adds and a win clears |
| Staking.DrawdownIsRunning | script.js:214-230 | `calculateDrawdown` equals that running total over the team's bets in store order |
| Staking.RunningDrawdownSnoc | script.js:214-230 | the running total after one more bet: unchanged if pending, zero if a win, plus its amount if a loss |
| Staking.DrawdownAfterBet | script.js:214-230 | one more bet leaves the drawdown unchanged if it is pending or another team's, clears it if it is a win, and adds its amount if it is a loss |
| Staking.RunningDrawdownNonNegative | script.js:214-230 | with non-negative amounts the running total is never negative |
| Staking.DrawdownNonNegative | script.js:214-230 | with non-negative amounts the drawdown is never negative |
| Staking.SumPayoutsSnoc | script.js:239 | the payout sum grows by `amount * odds` of the bet appended |
| Staking.TotalWinningsAfterBet | script.js:233-240 | one more bet adds `amount * odds` to the team's winnings if it is a win of that team, and nothing otherwise |
| Staking.TotalWinningsNonNegative | script.js:233-240 | with non-negative amounts and odds the winnings are never negative |
| Staking.CreatedNoLaterTotalPreorder | script.js:173 | ordering by creation time is a consistent comparator |
| Settlement.FindGame | script.js:265 | `findIndex`: -1 when no game has the id, otherwise the first game with it |
| Settlement.SettleBets | script.js:270-274 | settling keeps the number of bets |
| Settlement.SettleBetsSnoc | script.js:270-274 | settling distributes over appending a bet |
| Settlement.BetResultFor | script.js:273 | a bet wins exactly when its game ended in a draw |
| Settlement.SettleBet | script.js:271-273 | a bet on the settled game gets a result, a win exactly on a draw; every other field is kept, and a bet on another game is unchanged |
| Settlement.SettleBetsTail | script.js:270-274 | settling distributes over the tail of the bets |
| Settlement.SettleAgainOverwrites | script.js:264-280 | settling a game twice equals settling it once with the second outcome |
| Settlement.SettleTeamBets | script.js:270-274 | settlement commutes with taking one team's bets, since it ignores which team a bet backed |
| Settlement.SettleInsert | script.js:171-173 | settlement commutes with inserting into the creation order |
| Settlement.SettleByCreation | script.js:171-173 | settlement commutes with sorting by creation time |
| Settlement.NextBetAmountAfterDraw | script.js:264-280 | a draw on the game of the team's newest bet makes the next stake 1 |
| Settlement.RunningDrawdownNoDraw | script.js:264-280 | with non-negative amounts, a no-draw settlement never lowers the running drawdown |
| Settlement.DrawdownNeverFallsOnNoDraw | script.js:264-280 | a game settled without a draw never lowers any team's drawdown |
| Settlement.DrawdownClearedByDraw | script.js:264-280 | a draw on the game of the team's latest bet in store order clears its drawdown |
| Settlement.WinningsNeverRiseOnNoDraw | script.js:264-280 | a game settled without a draw never raises a team's winnings |
| Settlement.WinningsNeverFallOnDraw | script.js:264-280 | a draw never lowers a team's winnings |
| Odds.OddsFor | script.js:386-405 | no contract of its own; `Odds.OddsForChoosesGame` characterises it: which game's odds it returns, and when it returns none |
| Odds.FirstLeast | script.js:394-396 | the first element of a stable ascending sort: its key is least, and strictly less than every earlier element's |
| Odds.OddsForChoosesGame | script.js:386-405 | odds are found exactly when some game of the team has odds; when an upcoming game with odds exists they are those of the first, in store order, of the earliest such games; otherwise they are those of the first, in store order, of the latest games with odds, which then lies in the past |
| Odds.FirstLeastPosition | script.js:394-403 | `[0]` of the stable sort of the kept games is a kept game with the least key, and every kept game before it in store order has a strictly greater key |
| Odds.OddsForUpcoming | script.js:394-398 | with an upcoming game with odds, the lookup returns the odds of the first earliest such game in store order |
| Odds.OddsForPast | script.js:399-404 | with no upcoming game with odds but some game with odds, the lookup returns the odds of the first latest such game in store order, which lies in the past |
| Odds.OddsForNone | script.js:392-404 | with no game of the team that has odds, the lookup finds none |
| Sequences.FilterFilter | script.js:388-395 | filtering by one test and then another equals filtering once by both |
| Sequences.FilterPosition | script.js:394-396 | each element of a filtered sequence comes from the position of the input that has exactly as many survivors before it |
| Sequences.FilterIndexOrder | script.js:394-396 | survivors keep their order: an earlier survivor has a smaller position in the filtered sequence |
| Sequences.FilterNoneKept | script.js:394-403 | nothing survives a filter that no element passes |
| Store.PlacedStakesNonNegative | script.js:1135-1143 | bets admitted by the bet form satisfy the hypotheses of the staking lemmas |
| Store.FilterKeepsPlacedStakes | script.js:243-261 | deletes keep every surviving bet's stake and odds admissible |
| Store.ToggledFavorites | script.js:110-112 | keeps the number of teams; `Store.ToggleFlipsOnlyThatTeam` and `ToggleTwiceRestores` characterise the flip |
| Store.ToggleTwiceRestores | script.js:110-112 | flipping the same team's flag twice restores every team |
| Store.ToggleFlipsOnlyThatTeam | script.js:110-112 | teams with other ids come back unchanged, and a team with that id comes back with its flag negated and every other field kept |
| Store.DeleteBetUndoesAdd | script.js:151-167 | deleting a bet just added under a fresh id restores the bets |
| Store.DeleteTeamKeepsOpponentBets | script.js:98-107 | deleting a team keeps the other side's bets on its games, which then refer to a game that no longer exists |
| Store.DeleteCompetitionLeavesNoOrphans | script.js:57-67 | after deleting a competition no team, game or bet refers to it |
| Store.Tracker.constructor | script.js:3-10 | the tracker starts empty, with no competition selected |
| Store.Tracker.AddCompetition | script.js:43-56 | the competition is appended, and the other collections are unchanged (the model leaves out the games view's re-sort) |
| Store.Tracker.AddTeam | script.js:70-95 | with no competition selected nothing changes; otherwise a non-favourite team of that competition is inserted at some position, every other team keeps its order, and the teams stay ordered |
| Store.Tracker.AddGame | script.js:127-148 | with no competition selected nothing changes; otherwise the pending game is appended, whether or not its teams differ |
| Store.Tracker.AddBet | script.js:151-167 | the pending bet is appended, and the other collections are unchanged (the model leaves out the games view's re-sort) |
| Store.Tracker.DeleteCompetition | script.js:57-67 | the competition, and every team, game and bet with its id, is removed; the rest survive in order |
| Store.Tracker.DeleteTeam | script.js:98-107 | the team, every game it plays home or away, and every bet on it are removed; competitions are untouched |
| Store.Tracker.DeleteGame | script.js:243-251 | the game and the bets on it are removed; competitions and teams are untouched |
| Store.Tracker.DeleteBet | script.js:254-261 | only bets with that id are removed |
| Store.Tracker.ToggleFavorite | script.js:109-125 | the teams become the stable sort of the flipped teams: a permutation of them, ordered favourites first |
| Store.Tracker.UpdateGameResult | script.js:264-280 | an unknown game id changes nothing; otherwise the first game with the id gets the outcome and every bet on that game becomes a win on a draw and a loss otherwise; other records are unchanged |
| Store.Tracker.NextBetAmountFor | script.js:170-211 | the suggested stake is at least 1 for every stored team |
| Store.Tracker.DrawdownOf | script.js:214-230 | the drawdown of the stored bets is never negative |
| Store.Tracker.TotalWinningsOf | script.js:233-240 | the winnings of the stored bets are never negative |
| Scenarios.NoBetsStakeOne | script.js:175-177 | no bets: stake 1 whatever the odds |
| Scenarios.TwoLossesThenStake | script.js:170-230 | two lost one-unit bets: drawdown 2, and at odds 2 a stake of 1.625, which recovers only the older loss |
| Scenarios.WinResets | script.js:170-240 | a win of 1.625 at odds 2 pays 3.25, and resets the stake to 1 and the drawdown to 0 |

## Left out

- Store.Tracker: every store operation that changes the store (including a confirmed delete) ends with `renderAll()`. With no competition selected, `renderGames` then sorts `this.games` itself in place (script.js:481-503): pending games first, then future games first, then by date. The model keeps `games` in insertion order and leaves this re-sort out. The paths that return before `renderAll()` leave `games` untouched in the source too, so these clauses are exact: `AddTeam` and `AddGame` with no competition selected (script.js:71-74, 128-131) and `UpdateGameResult` with an unknown game id (script.js:266-277). With a competition selected, `renderGames` sorts a filtered copy and leaves `this.games` alone (script.js:481-488), so every operation run with a selection is exact as well. Only after the other operations, when no competition is selected, do the clauses that leave `games` unchanged or filtered in place hold for the model but not for the source's array order. The order matters to `Settlement.FindGame`, which takes the first game with the id, and to the store-order tie-break of `Odds.OddsForChoosesGame`.
- Rendering, notifications, view switching and event wiring (`render*`, `updateSelectors`, `showNotification`, `setupEventListeners`, `open*Modal`) are presentation, apart from the re-sort of games above. This includes the name lookups and the per-team profit figures of the team view.
- `saveData` and `loadData` (localStorage and JSON) and `copyToClipboard` are I/O. Consequently `Valid()` describes a tracker built by its own methods. Data loaded from storage could break it, for example unordered teams.
- The `confirm` dialog of each delete is taken as granted. A declined dialog changes nothing.
- `generateId` (clock and random source) and `new Date().toISOString()` are replaced by the `id` and `now` parameters. Fresh ids are not assumed unless a lemma says so.
- Store.Tracker.AddCompetition: `addCompetition` trims the name and the country (script.js:46-47), but the form passes them untrimmed (script.js:1052-1055). The model stores them as given, so with leading or trailing whitespace its record differs from the source's. `addTeam` trims the name too (script.js:79), but both team forms trim it first (script.js:1070, 1085), so `Store.Tracker.AddTeam` takes names already trimmed.
- `parseFloat`, `toFixed` and floating-point rounding are out of scope: amounts and odds are exact reals. Unparsable input (`NaN`) is not modelled.
- `localeCompare` is replaced by lexicographic order on characters. Locale collation is outside the model.
- Date strings are modelled as milliseconds. `gameDate` is an integer and `createdAt` is a natural number; parsing of date strings is left out.
- The form handlers read the DOM.
  - Their amount and odds checks (script.js:1135-1143) become the precondition of `Store.Tracker.AddBet`.
  - The check that the game exists (script.js:1145-1149) is not required: `AddBet` accepts any game id, as `addBet` does.
  - Their non-empty-field checks are left out.
  - So is their home ≠ away check (script.js:1112-1115), which `addGame` itself does not make.
- View state other than the selected competition (`selectedTeam`, `currentGameId`, `currentView`) is left out. The selected competition is a field of `Tracker` that the views set.
- Store.Tracker.ToggleFavorite: the source flips flags on the shared team objects through a filtered copy. The model flips them in the `teams` sequence directly, which has the same effect because the array holds the only references.


/** The draw odds the team view feeds into the stake rule (script.js,
    inside `renderTeams`): the earliest upcoming game of the team that has
    odds, else its latest game that has odds. The clock is the parameter
    `now`. */
module Odds {
  import opened Records
  import opened Sequences

  /** `g.drawOdds` is truthy: present and not zero. */
  predicate HasOdds(g: Game) {
    g.drawOdds.Some? && g.drawOdds.value != 0.0
  }

  /** A game of the team's competition in which the team plays home or away. */
  function PlaysIn(team: Team): Game -> bool {
    (g: Game) => g.competitionId == team.competitionId && (g.homeTeamId == team.id || g.awayTeamId == team.id)
  }

  function UpcomingWithOdds(now: int): Game -> bool {
    (g: Game) => g.gameDate > now && HasOdds(g)
  }

  function DateOf(g: Game): int {
    g.gameDate
  }

  function DateDescending(g: Game): int {
    -g.gameDate
  }

  /** `s.sort((a, b) => key(a) - key(b))[0]` for a stable sort: the first
      element, in the order of `s`, whose key is least. */
  function FirstLeast<T>(s: seq<T>, key: T -> int): (i: nat)
    requires |s| > 0
    ensures i < |s|
    ensures forall j :: 0 <= j < |s| ==> key(s[i]) <= key(s[j])
    ensures forall j :: 0 <= j < i ==> key(s[i]) < key(s[j])
  {
    if |s| == 1 then 0
    else
      var k := FirstLeast(s[1..], key);
      if key(s[0]) <= key(s[1..][k]) then 0 else k + 1
  }

  /** The odds used for the team's next stake, if any game of it has odds. */
  function OddsFor(games: seq<Game>, team: Team, now: int): Option<real> {
    var teamGames := Filter(games, PlaysIn(team));
    var upcoming := Filter(teamGames, UpcomingWithOdds(now));
    if upcoming != [] then upcoming[FirstLeast(upcoming, DateOf)].drawOdds
    else
      var priced := Filter(teamGames, HasOdds);
      if priced != [] then priced[FirstLeast(priced, DateDescending)].drawOdds
      else None
  }

  /** `s.filter(keep).sort(by key)[0]` as a position of `s`: a kept element
      with the least key, and the first such in the order of `s`. */
  lemma FirstLeastPosition<T>(s: seq<T>, keep: T -> bool, key: T -> int) returns (i: nat)
    requires Filter(s, keep) != []
    ensures i < |s| && keep(s[i]) && s[i] == Filter(s, keep)[FirstLeast(Filter(s, keep), key)]
    ensures forall j :: 0 <= j < |s| && keep(s[j]) ==> key(s[i]) <= key(s[j])
    ensures forall j :: 0 <= j < i && keep(s[j]) ==> key(s[i]) < key(s[j])
  {
    var f := Filter(s, keep);
    var m := FirstLeast(f, key);
    i := FilterPosition(s, keep, m);
    forall j | 0 <= j < |s| && keep(s[j])
      ensures key(s[i]) <= key(s[j])
      ensures j < i ==> key(s[i]) < key(s[j])
    {
      if j < i {
        FilterIndexOrder(s, keep, j, i);
      } else {
        FilterIndexOrder(s, keep, j, |s|);
      }
    }
  }

  /** With an upcoming priced game, the lookup returns the odds of the first
      earliest one in store order. */
  lemma OddsForUpcoming(games: seq<Game>, team: Team, now: int) returns (i: nat)
    requires exists k :: 0 <= k < |games| && PlaysIn(team)(games[k]) && UpcomingWithOdds(now)(games[k])
    ensures i < |games| && PlaysIn(team)(games[i]) && UpcomingWithOdds(now)(games[i])
    ensures OddsFor(games, team, now) == games[i].drawOdds
    ensures forall j :: 0 <= j < |games| && PlaysIn(team)(games[j]) && UpcomingWithOdds(now)(games[j])
              ==> games[i].gameDate <= games[j].gameDate
    ensures forall j :: 0 <= j < i && PlaysIn(team)(games[j]) && UpcomingWithOdds(now)(games[j])
              ==> games[i].gameDate < games[j].gameDate
  {
    var both := Both(PlaysIn(team), UpcomingWithOdds(now));
    FilterFilter(games, PlaysIn(team), UpcomingWithOdds(now));
    FilterContents(games, both);
    var k :| 0 <= k < |games| && PlaysIn(team)(games[k]) && UpcomingWithOdds(now)(games[k]);
    assert games[k] in Filter(games, both);
    i := FirstLeastPosition(games, both, DateOf);
  }

  /** With no upcoming priced game but some priced one, the lookup returns
      the odds of the first latest one in store order, which lies in the past. */
  lemma OddsForPast(games: seq<Game>, team: Team, now: int) returns (i: nat)
    requires forall k :: 0 <= k < |games| && PlaysIn(team)(games[k]) ==> !UpcomingWithOdds(now)(games[k])
    requires exists k :: 0 <= k < |games| && PlaysIn(team)(games[k]) && HasOdds(games[k])
    ensures i < |games| && PlaysIn(team)(games[i]) && HasOdds(games[i]) && games[i].gameDate <= now
    ensures OddsFor(games, team, now) == games[i].drawOdds
    ensures forall j :: 0 <= j < |games| && PlaysIn(team)(games[j]) && HasOdds(games[j])
              ==> games[j].gameDate <= games[i].gameDate
    ensures forall j :: 0 <= j < i && PlaysIn(team)(games[j]) && HasOdds(games[j])
              ==> games[j].gameDate < games[i].gameDate
  {
    var upcoming := Both(PlaysIn(team), UpcomingWithOdds(now));
    var priced := Both(PlaysIn(team), HasOdds);
    FilterFilter(games, PlaysIn(team), UpcomingWithOdds(now));
    FilterFilter(games, PlaysIn(team), HasOdds);
    FilterNoneKept(games, upcoming);
    FilterContents(games, priced);
    var k :| 0 <= k < |games| && PlaysIn(team)(games[k]) && HasOdds(games[k]);
    assert games[k] in Filter(games, priced);
    i := FirstLeastPosition(games, priced, DateDescending);
  }

  /** With no priced game of the team, the lookup finds nothing. */
  lemma OddsForNone(games: seq<Game>, team: Team, now: int)
    requires forall k :: 0 <= k < |games| && PlaysIn(team)(games[k]) ==> !HasOdds(games[k])
    ensures OddsFor(games, team, now) == None
  {
    var upcoming := Both(PlaysIn(team), UpcomingWithOdds(now));
    var priced := Both(PlaysIn(team), HasOdds);
    FilterFilter(games, PlaysIn(team), UpcomingWithOdds(now));
    FilterFilter(games, PlaysIn(team), HasOdds);
    FilterNoneKept(games, upcoming);
    FilterNoneKept(games, priced);
  }

  /** What the lookup finds: odds exactly when some game of the team has
      odds; those of the first, in store order, of the earliest upcoming
      such games when there is one; else those of the first of the latest
      such games, which then lies in the past. */
  lemma OddsForChoosesGame(games: seq<Game>, team: Team, now: int)
    ensures OddsFor(games, team, now).Some?
        <==> exists i :: 0 <= i < |games| && PlaysIn(team)(games[i]) && HasOdds(games[i])
    ensures (exists i :: 0 <= i < |games| && PlaysIn(team)(games[i]) && UpcomingWithOdds(now)(games[i])) ==>
              exists i :: 0 <= i < |games| && PlaysIn(team)(games[i]) && UpcomingWithOdds(now)(games[i])
                && OddsFor(games, team, now) == games[i].drawOdds
                && (forall j :: 0 <= j < |games| && PlaysIn(team)(games[j]) && UpcomingWithOdds(now)(games[j])
                      ==> games[i].gameDate <= games[j].gameDate)
                && (forall j :: 0 <= j < i && PlaysIn(team)(games[j]) && UpcomingWithOdds(now)(games[j])
                      ==> games[i].gameDate < games[j].gameDate)
    ensures (forall i :: 0 <= i < |games| && PlaysIn(team)(games[i]) ==> !UpcomingWithOdds(now)(games[i]))
            && OddsFor(games, team, now).Some? ==>
              exists i :: 0 <= i < |games| && PlaysIn(team)(games[i]) && HasOdds(games[i])
                && games[i].gameDate <= now
                && OddsFor(games, team, now) == games[i].drawOdds
                && (forall j :: 0 <= j < |games| && PlaysIn(team)(games[j]) && HasOdds(games[j])
                      ==> games[j].gameDate <= games[i].gameDate)
                && (forall j :: 0 <= j < i && PlaysIn(team)(games[j]) && HasOdds(games[j])
                      ==> games[j].gameDate < games[i].gameDate)
  {
    if exists k :: 0 <= k < |games| && PlaysIn(team)(games[k]) && UpcomingWithOdds(now)(games[k]) {
      var i := OddsForUpcoming(games, team, now);
      assert HasOdds(games[i]);
    } else if exists k :: 0 <= k < |games| && PlaysIn(team)(games[k]) && HasOdds(games[k]) {
      var i := OddsForPast(games, team, now);
    } else {
      OddsForNone(games, team, now);
    }
  }
}

/** The four record kinds of the draw-betting tracker, as plain values.
    Ids are the opaque strings the tracker generates; timestamps
    (`createdAt`, `gameDate`) are milliseconds since the epoch. */
module Records {

  type Id = string

  datatype Option<T> = None | Some(value: T)

  /** The result a settled bet carries. */
  datatype BetResult = Win | Loss

  /** The result written on a game: the wager is always "did it end in a draw". */
  datatype GameOutcome = Draw | NoDraw

  datatype Competition = Competition(id: Id, name: string, country: string, createdAt: nat)

  datatype Team = Team(id: Id, competitionId: Id, name: string, favorite: bool, createdAt: nat)

  datatype Game = Game(
    id: Id,
    competitionId: Id,
    homeTeamId: Id,
    awayTeamId: Id,
    gameDate: int,
    drawOdds: Option<real>,
    result: Option<GameOutcome>,
    createdAt: nat)

  datatype Bet = Bet(
    id: Id,
    gameId: Id,
    teamId: Id,
    competitionId: Id,
    amount: real,
    odds: real,
    result: Option<BetResult>,
    createdAt: nat)

  predicate IsWin(b: Bet) {
    b.result == Some(Win)
  }

  /** A bet is completed once its game has been settled (`result !== null`). */
  predicate IsSettled(b: Bet) {
    b.result.Some?
  }
}

/** The tournament records the detail tabs draw (src/types/tournament.d.ts). */
module Tournament {
  import opened Common

  /** One side of a match. */
  datatype MatchTeam = MatchTeam(id: int, name: string, logo: Option<string>, score: int)

  /** `TournamentMatch`. `stage` and `status` are the strings the back end
      sends; `matchDate` is the instant `new Date(match.matchDate)` stands
      for, in milliseconds. */
  datatype TournamentMatch = TournamentMatch(
    id: int,
    team1: MatchTeam,
    team2: MatchTeam,
    winner: Option<int>,
    stage: string,
    matchDate: int,
    status: string)

  const Scheduled := "scheduled"
  const Live := "live"
  const Completed := "completed"

  /** The three statuses the type declares. */
  predicate KnownStatus(status: string)
  {
    status == Scheduled || status == Live || status == Completed
  }

  datatype Participant = Participant(id: int, teamName: string, players: seq<string>, status: string)

  /** The three knockout rounds. */
  datatype Brackets = Brackets(quarterFinals: seq<TournamentMatch>, semiFinals: seq<TournamentMatch>, final: seq<TournamentMatch>)

  /** `TournamentDetail`, as far as the tabs read it. */
  datatype TournamentDetail = TournamentDetail(
    id: int,
    name: string,
    matches: seq<TournamentMatch>,
    participants: seq<Participant>,
    brackets: Brackets)
}

/** Users and their roles (apps/accounts/models.py). */
module AccountModels {
  import opened Base

  /** The one authorization axis: every user has exactly one of these four roles. */
  datatype Role = Organizer | Referee | Player | Spectator

  const DefaultRole: Role := Spectator

  /**
   * A user account. The password is kept as an opaque value compared for equality
   * (hashing is not modelled); the avatar image is not modelled.
   */
  datatype User = User(
    username: string,
    email: string,
    password: string,
    firstName: string,
    lastName: string,
    role: Role,
    phone: string,
    bio: string,
    isActive: bool,
    isStaff: bool,
    isSuperuser: bool)
  {
    predicate IsOrganizer() { role == Organizer }
    predicate IsReferee() { role == Referee }
    predicate IsPlayer() { role == Player }
    predicate IsSpectator() { role == Spectator }
  }
}

/** Tournaments and matches (apps/tournaments/models.py). */
module TournamentModels {
  import opened Base

  datatype TournamentStatus = Draft | Registration | InProgress | Completed | Cancelled

  datatype MatchStatus = Scheduled | InProgress | Completed | Disputed | Cancelled

  /** Bracket stage of a match, from the round of 128 to the final. */
  datatype Round = Round128 | Round64 | Round32 | Round16 | QuarterFinal | SemiFinal | Final

  const DefaultMaxPlayers: nat := 32
  const DefaultRound: Round := Round32

  datatype Tournament = Tournament(
    name: string,
    description: string,
    startDate: Time,
    endDate: Time,
    location: string,
    status: TournamentStatus,
    maxPlayers: nat,
    createdBy: UserId,
    players: set<UserId>,
    referees: set<UserId>)

  /** A match; both player slots, the referee and the winner are nullable references. */
  datatype Match = Match(
    tournamentId: TournamentId,
    player1: Option<UserId>,
    player2: Option<UserId>,
    referee: Option<UserId>,
    scheduledTime: Option<Time>,
    court: string,
    round: Round,
    status: MatchStatus,
    winner: Option<UserId>)

  function PlayerCount(t: Tournament): nat {
    |t.players|
  }

  predicate IsRegistrationOpen(t: Tournament) {
    t.status == Registration
  }

  predicate IsPlayerAssigned(m: Match) {
    m.player1.Some? && m.player2.Some?
  }

  predicate IsPlayerInMatch(m: Match, u: UserId) {
    m.player1 == Some(u) || m.player2 == Some(u)
  }
}

/** Score submissions (apps/scores/models.py), disputes and evidence (declared in apps/scores/migrations/0001_initial.py). */
module ScoreModels {
  import opened Base
  import opened SetScores

  datatype Score = Score(
    matchId: MatchId,
    submittedBy: UserId,
    setScores: seq<SetScore>,
    winner: Option<UserId>,
    isConfirmed: bool,
    confirmedBy: Option<UserId>,
    confirmedAt: Option<Time>)

  datatype DisputeStatus = Open | UnderReview | Resolved {
    /** An active dispute is one still being handled. */
    predicate IsActive() { this == Open || this == UnderReview }
  }

  datatype Dispute = Dispute(
    matchId: MatchId,
    raisedBy: UserId,
    reason: string,
    status: DisputeStatus,
    resolvedBy: Option<UserId>,
    resolutionNotes: string,
    resolvedAt: Option<Time>,
    finalScore: Option<ScoreId>)

  datatype Evidence = Evidence(
    disputeId: DisputeId,
    submittedBy: UserId,
    file: Option<FileRef>,
    description: string)
}

/** Per-tournament and global ranking rows (apps/rankings/models.py). */
module RankingModels {

  /** A player's standing in one tournament; the (player, tournament) pair is its key in the store. */
  datatype Ranking = Ranking(
    points: int,
    wins: int,
    losses: int,
    setsWon: int,
    setsLost: int,
    gamesWon: int,
    gamesLost: int,
    position: nat)

  /** A player's standing across all tournaments; the player is its key in the store. */
  datatype GlobalRanking = GlobalRanking(
    totalPoints: int,
    totalWins: int,
    totalLosses: int,
    tournamentsPlayed: int,
    tournamentsWon: int,
    position: nat)

  const NewRanking: Ranking := Ranking(0, 0, 0, 0, 0, 0, 0, 0)
  const NewGlobalRanking: GlobalRanking := GlobalRanking(0, 0, 0, 0, 0, 0)

  function MatchesPlayed(r: Ranking): int {
    r.wins + r.losses
  }

  /**
   * Share of matches won, in percent, computed exactly. It is 0 before any match
   * is played and lies between 0 and 100 once counters are non-negative.
   */
  function WinPercentage(r: Ranking): (pct: real)
    ensures MatchesPlayed(r) == 0 ==> pct == 0.0
    ensures r.wins >= 0 && r.losses >= 0 ==> 0.0 <= pct <= 100.0
    ensures r.losses == 0 && r.wins > 0 ==> pct == 100.0
  {
    if MatchesPlayed(r) == 0 then 0.0
    else
      var share := r.wins as real / MatchesPlayed(r) as real;
      assert r.wins >= 0 && r.losses >= 0 ==> 0.0 <= share <= 1.0 by {
        if r.wins >= 0 && r.losses >= 0 {
          assert r.wins as real <= MatchesPlayed(r) as real;
        }
      }
      assert r.losses == 0 && r.wins > 0 ==> share == 1.0 by {
        if r.losses == 0 && r.wins > 0 {
          assert MatchesPlayed(r) as real == r.wins as real;
        }
      }
      share * 100.0
  }

  /**
   * Sort key of a tournament row, smallest first: points descending, wins
   * descending, losses ascending, sets won descending.
   */
  function RankingKey(r: Ranking): seq<int> {
    [-r.points, -r.wins, r.losses, -r.setsWon]
  }

  /** Sort key of a global row: total points descending, total wins descending, total losses ascending. */
  function GlobalKey(g: GlobalRanking): seq<int> {
    [-g.totalPoints, -g.totalWins, g.totalLosses]
  }
}
